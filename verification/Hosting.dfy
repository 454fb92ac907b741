/** What holds of hosts and messages in every run of the program, with no condition on any step:
    outstanding submits hold one busy host each, and a booking takes only free hosts. */
module Hosting {
  import opened JobQueue
  import opened Machine
  import opened Invariant
  import opened Exactness
  import Steps
  import DispatchSteps
  import ResultSteps

  /** What a booking knows of the host it is at. */
  ghost predicate BookedHost(hosts: nat, pcstat: seq<HostStat>, nodesstat: seq<int>, d: Dispatcher)
    requires hosts < |pcstat| == |nodesstat|
  {
    d.Booking? && !d.at.Look? ==>
      && 1 <= d.k <= hosts
      && (d.at.Send? <==> pcstat[d.k].Busy?)
      && (!d.at.Name? ==> nodesstat[d.k] == d.w.job)
  }

  ghost predicate Hosted(s: System) {
    && WellFormed(s)
    && HostInv(s.m.hosts, s.m.pcstat, s.m.nodesstat, Sending(s.d), s.ledger)
    && BookedHost(s.m.hosts, s.m.pcstat, s.m.nodesstat, s.d)
    && (forall f :: 0 <= f < |s.ledger| ==> s.ledger[f].ticket < |s.popped|)
  }

  lemma BaseIsHosted(s: System)
    requires Base(s)
    ensures Hosted(s)
  {
  }

  lemma InitHosted(hosts: nat, resets: bool)
    requires hosts < MAX_NUM_HOSTS
    ensures Hosted(Init(hosts, resets))
  {
  }

  /** `s'` has the hosts and messages of `s`. */
  ghost predicate SameHosts(s: System, s': System) {
    && s'.m.hosts == s.m.hosts && s'.m.pcstat == s.m.pcstat && s'.m.nodesstat == s.m.nodesstat
    && s'.ledger == s.ledger && |s.popped| <= |s'.popped| && Sending(s'.d) == Sending(s.d)
  }

  lemma HostedFrame(s: System, s': System)
    requires Hosted(s) && WellFormed(s') && SameHosts(s, s')
    requires BookedHost(s.m.hosts, s.m.pcstat, s.m.nodesstat, s'.d)
    ensures Hosted(s')
  {
  }

  lemma ScanFacts(s: System)
    requires WellFormed(s) && Enabled(s, Dispatch) && !Books(s, Name) && !Books(s, Take) && !Books(s, Send)
    ensures SameHosts(s, DispatchStep(s))
    ensures BookedHost(s.m.hosts, s.m.pcstat, s.m.nodesstat, DispatchStep(s).d)
  {
  }

  lemma HostedScan(s: System)
    requires Hosted(s) && Enabled(s, Dispatch) && !Books(s, Name) && !Books(s, Take) && !Books(s, Send)
    requires WellFormed(DispatchStep(s))
    ensures Hosted(DispatchStep(s))
  {
    ScanFacts(s);
    HostedFrame(s, DispatchStep(s));
  }

  lemma HostedBook(s: System)
    requires Hosted(s) && (Books(s, Name) || Books(s, Take) || Books(s, Send)) && WellFormed(DispatchStep(s))
    ensures Hosted(DispatchStep(s))
  {
    match s.d.at
    case Name => DispatchSteps.NameHosts(s.m.hosts, s.m.pcstat, s.m.nodesstat, s.ledger, s.d.k, s.d.w.job);
    case Take => DispatchSteps.TakeHosts(s.m.hosts, s.m.pcstat, s.m.nodesstat, s.ledger, s.d.k);
    case Send =>
      var x := Flight(s.d.k, s.d.w.job, s.d.w.comm, |s.popped| - 1, Submitted);
      DispatchSteps.SendHosts(s.m.hosts, s.m.pcstat, s.m.nodesstat, s.ledger, x);
  }

  lemma HostedReturn(s: System, f: nat)
    requires Hosted(s) && Enabled(s, ResultTake(f)) && WellFormed(Next(s, ResultTake(f)))
    ensures Hosted(Next(s, ResultTake(f)))
  {
    var l' := Next(s, ResultTake(f)).ledger;
    ResultSteps.TakenHosts(s.ledger, l', f, s.m.hosts, s.m.pcstat, s.m.nodesstat, Sending(s.d));
  }

  lemma HostedWorker(s: System, e: Event)
    requires Hosted(s) && Enabled(s, e) && WellFormed(Next(s, e))
    requires e.WorkerTake? || e.WorkerDone? || e.CancelHit? || e.Lose?
    ensures Hosted(Next(s, e))
  {
    Steps.MovedHosts(s.ledger, Next(s, e).ledger, e.f, s.m.hosts, s.m.pcstat, s.m.nodesstat, Sending(s.d));
  }

  lemma HostedOther(s: System, e: Event)
    requires Hosted(s) && Enabled(s, e) && WellFormed(Next(s, e)) && !e.Dispatch? && !e.ResultTake?
    requires !e.WorkerTake? && !e.WorkerDone? && !e.CancelHit? && !e.Lose?
    ensures Hosted(Next(s, e))
  {
    OtherFacts(s, e);
    HostedFrame(s, Next(s, e));
  }

  lemma OtherFacts(s: System, e: Event)
    requires WellFormed(s) && Enabled(s, e) && !e.Dispatch? && !e.ResultTake?
    requires !e.WorkerTake? && !e.WorkerDone? && !e.CancelHit? && !e.Lose?
    ensures SameHosts(s, Next(s, e)) && Next(s, e).d == s.d
  {
  }

  /** Every step of the program keeps it; no condition is asked. */
  lemma HostedStep(s: System, e: Event)
    requires Hosted(s) && Enabled(s, e)
    ensures Hosted(Next(s, e))
  {
    NextWellFormed(s, e);
    if e.Dispatch? {
      if Books(s, Name) || Books(s, Take) || Books(s, Send) {
        HostedBook(s);
      } else {
        HostedScan(s);
      }
    } else if e.ResultTake? {
      HostedReturn(s, e.f);
    } else if e.WorkerTake? || e.WorkerDone? || e.CancelHit? || e.Lose? {
      HostedWorker(s, e);
    } else {
      HostedOther(s, e);
    }
  }

  lemma {:induction false} RunHosted(s: System, es: seq<Event>)
    requires Hosted(s) && Run(s, es)
    ensures Hosted(After(s, es))
    decreases |es|
  {
    if es != [] {
      HostedStep(s, es[0]);
      RunHosted(Next(s, es[0]), es[1..]);
    }
  }

  /** Every run from the start, whatever the callers do. */
  lemma MasterRunHosted(hosts: nat, resets: bool, es: seq<Event>)
    requires hosts < MAX_NUM_HOSTS && Run(Init(hosts, resets), es)
    ensures Hosted(After(Init(hosts, resets), es))
  {
    InitHosted(hosts, resets);
    RunHosted(Init(hosts, resets), es);
  }

  /** Of all submits to a host at most one is outstanding. */
  lemma OneOwed(s: System, f: nat, g: nat)
    requires Hosted(s) && f < |s.ledger| && g < |s.ledger| && s.ledger[f].host == s.ledger[g].host
    requires s.ledger[f].Owed() && s.ledger[g].Owed()
    ensures f == g
  {
  }
}
