/** Which job a host is taken to be working for: in every run the one its last submit was for, or
    the one it is about to be sent. */
module Naming {
  import opened JobQueue
  import opened Machine
  import opened Exactness

  /** The job of the last submit sent to host `k`, or -1. */
  function LastJob(l: seq<Flight>, k: nat): int {
    if l == [] then -1 else if l[|l| - 1].host == k then l[|l| - 1].job else LastJob(l[..|l| - 1], k)
  }

  /** The job host `k` was last given: that of its last submit, or the one the dispatcher is just
      giving it. */
  ghost function LastGiven(s: System, k: nat): int {
    if s.d.Booking? && (s.d.at.Take? || s.d.at.Send?) && s.d.k == k then s.d.w.job else LastJob(s.ledger, k)
  }

  ghost predicate Named(s: System) {
    WellFormed(s) && forall k :: 1 <= k <= s.m.hosts ==> s.m.nodesstat[k] == LastGiven(s, k)
  }

  lemma LastJobSnoc(l: seq<Flight>, x: Flight, k: nat)
    ensures LastJob(l + [x], k) == if x.host == k then x.job else LastJob(l, k)
  {
    assert (l + [x])[..|l|] == l;
  }

  lemma {:induction false} LastJobSame(l: seq<Flight>, l': seq<Flight>, k: nat)
    requires |l| == |l'| && forall f :: 0 <= f < |l| ==> l'[f].host == l[f].host && l'[f].job == l[f].job
    ensures LastJob(l', k) == LastJob(l, k)
    decreases |l|
  {
    if l != [] {
      LastJobSame(l[..|l| - 1], l'[..|l| - 1], k);
    }
  }

  lemma NamedDispatch(s: System, k: nat)
    requires Named(s) && Enabled(s, Dispatch) && 1 <= k <= s.m.hosts
    ensures DispatchStep(s).m.hosts == s.m.hosts && |DispatchStep(s).m.nodesstat| == |s.m.nodesstat|
    ensures DispatchStep(s).m.nodesstat[k] == LastGiven(DispatchStep(s), k)
  {
    if Books(s, Send) {
      LastJobSnoc(s.ledger, Flight(s.d.k, s.d.w.job, s.d.w.comm, |s.popped| - 1, Submitted), k);
    }
    assert s.m.nodesstat[k] == LastGiven(s, k);
  }

  lemma OtherParts(s: System, e: Event)
    requires WellFormed(s) && Enabled(s, e) && !e.Dispatch?
    ensures var s' := Next(s, e);
            && s'.d == s.d && s'.m.hosts == s.m.hosts && s'.m.nodesstat == s.m.nodesstat
            && |s'.ledger| == |s.ledger|
            && forall f :: 0 <= f < |s.ledger| ==>
                 s'.ledger[f].host == s.ledger[f].host && s'.ledger[f].job == s.ledger[f].job
  {
  }

  lemma NamedStep(s: System, e: Event)
    requires Named(s) && Enabled(s, e)
    ensures Named(Next(s, e))
  {
    NextWellFormed(s, e);
    if !e.Dispatch? {
      OtherParts(s, e);
    }
    forall k | 1 <= k <= Next(s, e).m.hosts ensures Next(s, e).m.nodesstat[k] == LastGiven(Next(s, e), k) {
      if e.Dispatch? {
        DispatchHosts(s);
        NamedDispatch(s, k);
      } else {
        LastJobSame(s.ledger, Next(s, e).ledger, k);
        assert s.m.nodesstat[k] == LastGiven(s, k);
      }
    }
  }

  lemma DispatchHosts(s: System)
    requires WellFormed(s) && Enabled(s, Dispatch)
    ensures DispatchStep(s).m.hosts == s.m.hosts
  {
  }

  lemma {:induction false} RunNamed(s: System, es: seq<Event>)
    requires Named(s) && Run(s, es)
    ensures Named(After(s, es))
    decreases |es|
  {
    if es != [] {
      NamedStep(s, es[0]);
      RunNamed(Next(s, es[0]), es[1..]);
    }
  }

  /** In every run from the start the sweep of a cancel sends one to a host, free or busy, if and
      only if the job named is the one the host was last given. */
  lemma RunSendsToLastGiven(hosts: nat, resets: bool, es: seq<Event>)
    requires hosts < MAX_NUM_HOSTS && Run(Init(hosts, resets), es)
    requires var s := After(Init(hosts, resets), es);
             WellFormed(s) && s.mon.Sweeping? && s.mon.node <= s.m.hosts
    ensures var s := After(Init(hosts, resets), es);
            SweepStep(s).cancels ==
            if LastGiven(s, s.mon.node) == s.mon.target
            then s.cancels + [CancelMsg(s.mon.node, s.mon.target, false)] else s.cancels
  {
    RunNamed(Init(hosts, resets), es);
  }
}
